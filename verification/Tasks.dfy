/** One sync task served by several replicas at once: the phase they share, the failure hook, the
    history row, and the goroutine that closes the task. Every interleaving of their steps is a run. */
module Tasks {
  import opened Model

  datatype Phase = PENDING | SCANNING | TRANSFERRING | COMPLETED | FAILED

  // ---- pkg/store/tasks.go --------------------------------------------------------------------

  /** The history row of a task. */
  datatype TaskRow = TaskRow(phase: Phase, error: string, ended: bool)

  predicate Terminal(phase: Phase) { phase == COMPLETED || phase == FAILED }

  const NEW_ROW: TaskRow := TaskRow(PENDING, "", false)

  /** A change of phase; the error stays. */
  function PhaseUpdate(row: TaskRow, phase: Phase): TaskRow { TaskRow(phase, row.error, Terminal(phase)) }

  function FailureUpdate(row: TaskRow, reason: string): TaskRow {
    row.(phase := FAILED, error := if reason == "" then "task failed" else reason, ended := true)
  }

  /** What a restart of the agent does to a row. */
  function RestartUpdate(row: TaskRow, reason: string): TaskRow {
    if Terminal(row.phase) then row
    else TaskRow(FAILED, if reason == "" then "agent stopped before task completed" else reason, true)
  }

  /** A row ends exactly when its phase is terminal. */
  predicate SoundRow(row: TaskRow) { row.ended <==> Terminal(row.phase) }

  class TaskTable {
    var rows: map<string, TaskRow>

    ghost predicate Valid()
      reads this
    {
      forall id :: id in rows ==> SoundRow(rows[id])
    }

    /** After a restart no row is left in progress, and no finished row has changed. */
    method FailIncompleteTasks(reason: string)
      requires Valid()
      modifies this
      ensures Valid() && rows.Keys == old(rows).Keys
      ensures forall id :: id in rows ==> rows[id] == if Terminal(old(rows)[id].phase) then old(rows)[id]
        else TaskRow(FAILED, if reason == "" then "agent stopped before task completed" else reason, true)
    {
      rows := map id | id in rows :: RestartUpdate(rows[id], reason);
    }
  }

  // ---- one task ------------------------------------------------------------------------------

  /** How far one replica is: syncing; failed with the tracker set; failed with the row written too;
      returned. */
  datatype Pc = Working | TrackerFailed | RowFailed | Returned(failed: bool)

  /** The closing goroutine: waiting for all replicas; decided to complete; tracker set; done. `GaveUp`
      is the early return when it finds the tracker failed. */
  datatype Closer = Waiting | GaveUp | Completing | TrackerCompleted | Closed

  datatype Task = Task(tracker: Phase, row: TaskRow, notified: bool, hooks: nat, completions: nat, pcs: seq<Pc>,
                       closer: Closer)

  datatype Step =
    | Report(i: nat, phase: Phase) // SetPhase of a working replica
    | Succeed(i: nat)
    | FailTracker(i: nat) // markFailed, first the tracker
    | FailRow(i: nat, reason: string, written: bool) // then the history row; a write error is ignored
    | FailNotify(i: nat) // then, under the lock, the hook
    | Check
    | SetCompleted
    | RecordCompleted(written: bool)

  function Start(replicas: nat): Task {
    Task(SCANNING, NEW_ROW, false, 0, 0, seq(replicas, _ => Working), Waiting)
  }

  predicate AllReturned(t: Task) { forall i :: 0 <= i < |t.pcs| ==> t.pcs[i].Returned? }

  predicate At(t: Task, i: nat, pc: Pc) { i < |t.pcs| && t.pcs[i] == pc }

  function Next(t: Task, s: Step): Option<Task> {
    match s
    case Report(i, phase) =>
      if At(t, i, Working) && (phase == SCANNING || phase == TRANSFERRING) then Some(t.(tracker := phase)) else None
    case Succeed(i) =>
      if At(t, i, Working) then Some(t.(pcs := t.pcs[i := Returned(false)])) else None
    case FailTracker(i) =>
      if At(t, i, Working) then Some(t.(tracker := FAILED, pcs := t.pcs[i := TrackerFailed])) else None
    case FailRow(i, reason, written) =>
      if At(t, i, TrackerFailed) then
        Some(t.(row := if written then FailureUpdate(t.row, reason) else t.row, pcs := t.pcs[i := RowFailed]))
      else None
    case FailNotify(i) =>
      if At(t, i, RowFailed) then
        Some(t.(hooks := if t.notified then t.hooks else t.hooks + 1, notified := true,
          pcs := t.pcs[i := Returned(true)]))
      else None
    case Check =>
      if t.closer == Waiting && AllReturned(t) then
        Some(t.(closer := if t.tracker == FAILED then GaveUp else Completing))
      else None
    case SetCompleted =>
      if t.closer == Completing then Some(t.(tracker := COMPLETED, closer := TrackerCompleted)) else None
    case RecordCompleted(written) =>
      if t.closer == TrackerCompleted then
        Some(t.(row := if written then PhaseUpdate(t.row, COMPLETED) else t.row, completions := t.completions + 1,
          closer := Closed))
      else None
  }

  function Run(t: Task, steps: seq<Step>): Option<Task>
    decreases |steps|
  {
    if steps == [] then Some(t)
    else match Run(t, steps[..|steps| - 1])
      case None => None
      case Some(u) => Next(u, steps[|steps| - 1])
  }

  // ---- what every run keeps ------------------------------------------------------------------

  /** The last phase a replica reported; the tracker starts out scanning. */
  function LastPhase(steps: seq<Step>): Phase
    decreases |steps|
  {
    if steps == [] then SCANNING
    else match steps[|steps| - 1]
      case Report(_, phase) => phase
      case FailTracker(_) => FAILED
      case _ => LastPhase(steps[..|steps| - 1])
  }

  predicate Failing(t: Task, i: nat) { At(t, i, TrackerFailed) || At(t, i, RowFailed) || At(t, i, Returned(true)) }

  ghost predicate Kept(t: Task, steps: seq<Step>, replicas: nat) { HooksKept(t, replicas) && PhaseKept(t, steps) }

  ghost predicate HooksKept(t: Task, replicas: nat) {
    && |t.pcs| == replicas
    && t.hooks == (if t.notified then 1 else 0)
    && (t.notified <==> exists i :: 0 <= i < |t.pcs| && t.pcs[i] == Returned(true))
    && t.completions == (if t.closer == Closed then 1 else 0)
  }

  ghost predicate PhaseKept(t: Task, steps: seq<Step>) {
    && (t.row.phase == COMPLETED ==> t.closer == Closed)
    && (t.closer != Waiting ==> AllReturned(t))
    && (t.closer.Waiting? || t.closer.GaveUp? || t.closer.Completing? ==> t.tracker == LastPhase(steps))
    && (t.closer != Waiting ==> (t.closer == GaveUp <==> LastPhase(steps) == FAILED))
  }

  lemma {:induction false} StepKeeps(t: Task, steps: seq<Step>, s: Step, replicas: nat)
    requires Kept(t, steps, replicas) && Next(t, s).Some?
    ensures Kept(Next(t, s).value, steps + [s], replicas)
  {
    hide Next, HooksKept, PhaseKept;
    StepHooks(t, s, replicas);
    StepPhase(t, steps, s);
  }

  lemma {:induction false} StepHooks(t: Task, s: Step, replicas: nat)
    requires HooksKept(t, replicas) && Next(t, s).Some?
    ensures HooksKept(Next(t, s).value, replicas)
  {
    hide PhaseUpdate, FailureUpdate;
    var u := Next(t, s).value;
    match s
    case Succeed(i) => Moved(t, u, i);
    case FailTracker(i) => Moved(t, u, i);
    case FailRow(i, _, _) => Moved(t, u, i);
    case FailNotify(i) => assert u.pcs[i] == Returned(true);
    case _ =>
  }

  lemma {:induction false} StepPhase(t: Task, steps: seq<Step>, s: Step)
    requires PhaseKept(t, steps) && Next(t, s).Some?
    ensures PhaseKept(Next(t, s).value, steps + [s])
  {
    hide Terminal;
    assert (steps + [s])[..|steps|] == steps;
    if s.Report? { assert t.pcs[s.i] == Working; }
  }

  /** A replica that moves without passing the hook does not change whether one has passed it. */
  lemma {:induction false} Moved(t: Task, u: Task, i: nat)
    requires i < |t.pcs| == |u.pcs| && u.pcs == t.pcs[i := u.pcs[i]]
    requires t.pcs[i] != Returned(true) && u.pcs[i] != Returned(true)
    ensures (exists j :: 0 <= j < |t.pcs| && t.pcs[j] == Returned(true)) <==>
      exists j :: 0 <= j < |u.pcs| && u.pcs[j] == Returned(true)
  {
    assert forall j :: 0 <= j < |t.pcs| && j != i ==> u.pcs[j] == t.pcs[j];
  }

  lemma {:induction false} RunKeeps(replicas: nat, steps: seq<Step>)
    requires Run(Start(replicas), steps).Some?
    ensures Kept(Run(Start(replicas), steps).value, steps, replicas)
    decreases |steps|
  {
    if steps != [] {
      hide Kept, Next;
      var before, s := steps[..|steps| - 1], steps[|steps| - 1];
      RunKeeps(replicas, before);
      StepKeeps(Run(Start(replicas), before).value, before, s, replicas);
      assert before + [s] == steps;
    }
  }

  /** The hook starts at most once, and exactly if some replica has failed to the end; the task is
      recorded completed at most once, and only after every replica has returned. */
  lemma {:induction false} OnceOnly(replicas: nat, steps: seq<Step>)
    requires Run(Start(replicas), steps).Some?
    ensures var t := Run(Start(replicas), steps).value;
      && t.hooks <= 1
      && (t.hooks == 1 <==> exists i :: 0 <= i < |t.pcs| && t.pcs[i] == Returned(true))
      && t.completions <= 1
      && (t.completions == 1 || t.row.phase == COMPLETED || t.tracker == COMPLETED ==> AllReturned(t))
  {
    RunKeeps(replicas, steps);
    TrackerCompletes(replicas, steps);
  }

  lemma {:induction false} TrackerCompletes(replicas: nat, steps: seq<Step>)
    requires Run(Start(replicas), steps).Some?
    ensures var t := Run(Start(replicas), steps).value;
      t.tracker == COMPLETED ==> t.closer == TrackerCompleted || t.closer == Closed
    decreases |steps|
  {
    if steps != [] {
      TrackerCompletes(replicas, steps[..|steps| - 1]);
      RunKeeps(replicas, steps[..|steps| - 1]);
      hide LastPhase, Terminal, PhaseUpdate, FailureUpdate;
    }
  }

  /** What decides the outcome: the task ends completed exactly if the last phase any replica reported
      was not the failed one, whoever reported it. */
  lemma {:induction false} OutcomeIff(replicas: nat, steps: seq<Step>)
    requires Run(Start(replicas), steps).Some? && Run(Start(replicas), steps).value.closer != Waiting
    ensures Run(Start(replicas), steps).value.closer == GaveUp <==> LastPhase(steps) == FAILED
  {
    RunKeeps(replicas, steps);
  }

  // ---- what the history row says -------------------------------------------------------------

  predicate WritesFailure(s: Step) { s.FailRow? && s.written }

  predicate WritesCompletion(s: Step) { s.RecordCompleted? && s.written }

  ghost predicate FailureWritten(steps: seq<Step>) { exists i :: 0 <= i < |steps| && WritesFailure(steps[i]) }

  ghost predicate CompletionWritten(steps: seq<Step>) { exists i :: 0 <= i < |steps| && WritesCompletion(steps[i]) }

  /** The reason written last, as the row shows it. */
  function LastReason(steps: seq<Step>): string
    decreases |steps|
  {
    if steps == [] then ""
    else
      var s := steps[|steps| - 1];
      if !WritesFailure(s) then LastReason(steps[..|steps| - 1])
      else if s.reason == "" then "task failed"
      else s.reason
  }

  lemma {:induction false} WrittenStep(steps: seq<Step>)
    requires steps != []
    ensures FailureWritten(steps) <==> FailureWritten(steps[..|steps| - 1]) || WritesFailure(steps[|steps| - 1])
    ensures CompletionWritten(steps) <==>
      CompletionWritten(steps[..|steps| - 1]) || WritesCompletion(steps[|steps| - 1])
  {
    var before := steps[..|steps| - 1];
    assert forall i :: 0 <= i < |before| ==> before[i] == steps[i];
  }

  /** The row of any run: completed exactly if completion was written, failed exactly if a failure was and
      completion was not, ended in those two cases; and its error is the reason written last, so that a
      completed row still carries one exactly if some replica wrote its failure. */
  lemma {:induction false} RowTells(replicas: nat, steps: seq<Step>)
    requires Run(Start(replicas), steps).Some?
    ensures var row := Run(Start(replicas), steps).value.row;
      && SoundRow(row)
      && (row.phase == COMPLETED <==> CompletionWritten(steps))
      && (row.phase == FAILED <==> FailureWritten(steps) && !CompletionWritten(steps))
      && row.error == LastReason(steps)
      && (row.error != "" <==> FailureWritten(steps))
    decreases |steps|
  {
    hide Kept;
    if steps != [] {
      var before, s := steps[..|steps| - 1], steps[|steps| - 1];
      RowTells(replicas, before);
      WrittenStep(steps);
      if s.FailRow? { FailingIsOpen(replicas, before, s); }
    }
  }

  /** While a replica is still failing the task has not been completed. */
  lemma {:induction false} FailingIsOpen(replicas: nat, steps: seq<Step>, s: Step)
    requires Run(Start(replicas), steps).Some? && s.FailRow? && Next(Run(Start(replicas), steps).value, s).Some?
    ensures Run(Start(replicas), steps).value.row.phase != COMPLETED
  {
    RunKeeps(replicas, steps);
  }

  /** If the agent is stopped anywhere in a run, the row it finds settled after the restart is completed
      exactly if completion had been written, and failed with a reason otherwise. */
  lemma {:induction false} AfterRestart(replicas: nat, steps: seq<Step>, reason: string)
    requires Run(Start(replicas), steps).Some?
    ensures var row := RestartUpdate(Run(Start(replicas), steps).value.row, reason);
      && row.ended && row.phase == (if CompletionWritten(steps) then COMPLETED else FAILED)
      && (row.phase == FAILED ==> row.error != "")
  {
    hide CompletionWritten, FailureWritten, LastReason, Run;
    RowTells(replicas, steps);
  }

  /** With a single server a failure is final: nothing reports after it. */
  lemma {:induction false} SoleFailureSticks(steps: seq<Step>)
    requires Run(Start(1), steps).Some? && Failing(Run(Start(1), steps).value, 0)
    ensures LastPhase(steps) == FAILED
    ensures Run(Start(1), steps).value.row.phase != COMPLETED && Run(Start(1), steps).value.tracker == FAILED
    decreases |steps|
  {
    NotFailingYet();
    if steps != [] {
      hide Kept, Next, Failing, LastPhase, Start;
      var before, s := steps[..|steps| - 1], steps[|steps| - 1];
      var t := Run(Start(1), before).value;
      RunKeeps(1, before);
      if Failing(t, 0) { SoleFailureSticks(before); }
      SoleStep(t, before, s);
      assert before + [s] == steps;
    }
  }

  lemma {:induction false} NotFailingYet()
    ensures Run(Start(1), []) == Some(Start(1)) && !Failing(Start(1), 0)
  {}

  /** One step of a single replica's task. */
  lemma {:induction false} SoleStep(t: Task, steps: seq<Step>, s: Step)
    requires Kept(t, steps, 1) && Next(t, s).Some? && Failing(Next(t, s).value, 0)
    requires Failing(t, 0) ==> LastPhase(steps) == FAILED && t.row.phase != COMPLETED && t.tracker == FAILED
    ensures LastPhase(steps + [s]) == FAILED
    ensures Next(t, s).value.row.phase != COMPLETED && Next(t, s).value.tracker == FAILED
  {
    assert (steps + [s])[..|steps|] == steps;
    assert |t.pcs| == 1;
    hide Kept;
    if s.Check? || s.SetCompleted? || s.RecordCompleted? {
      SoleCloses(t, steps);
    }
  }

  /** A failing sole replica is never completed over. */
  lemma {:induction false} SoleCloses(t: Task, steps: seq<Step>)
    requires Kept(t, steps, 1) && LastPhase(steps) == FAILED
    ensures t.closer != Completing && t.closer != TrackerCompleted
  {}

  predicate Overwritten(t: Task) {
    && t.hooks == 1 && t.pcs == [Returned(true), Returned(false)] && t.tracker == COMPLETED
    && t.row == TaskRow(COMPLETED, "unreachable", true)
  }

  /** The first server fails all the way through its hook. */
  lemma {:induction false} FirstFails() returns (steps: seq<Step>)
    ensures Run(Start(2), steps) ==
      Some(Task(FAILED, TaskRow(FAILED, "unreachable", true), true, 1, 0, [Returned(true), Working], Waiting))
  {
    hide Run;
    var t0 := Start(2);
    assert t0.pcs == [Working, Working];
    assert [Working, Working][0 := TrackerFailed] == [TrackerFailed, Working];
    assert [TrackerFailed, Working][0 := RowFailed] == [RowFailed, Working];
    assert [RowFailed, Working][0 := Returned(true)] == [Returned(true), Working];
    RunNothing(t0);
    var t1, s1 := Take(t0, [], t0, FailTracker(0), t0.(tracker := FAILED, pcs := [TrackerFailed, Working]));
    var row := FailureUpdate(NEW_ROW, "unreachable");
    var t2, s2 := Take(t0, s1, t1, FailRow(0, "unreachable", true), t1.(row := row, pcs := [RowFailed, Working]));
    var t3, s3 := Take(t0, s2, t2, FailNotify(0),
                       t2.(hooks := 1, notified := true, pcs := [Returned(true), Working]));
    steps := s3;
  }

  /** The second then reports that it is transferring and succeeds. */
  lemma {:induction false} SecondSucceeds() returns (steps: seq<Step>)
    ensures Run(Start(2), steps) == Some(Task(TRANSFERRING, TaskRow(FAILED, "unreachable", true), true, 1, 0,
                                              [Returned(true), Returned(false)], Waiting))
  {
    hide Run, Start;
    var t0 := Start(2);
    var s3 := FirstFails();
    var t3 := Run(t0, s3).value;
    assert [Returned(true), Working][1 := Returned(false)] == [Returned(true), Returned(false)];
    var t4, s4 := Take(t0, s3, t3, Report(1, TRANSFERRING), t3.(tracker := TRANSFERRING));
    var t5, s5 := Take(t0, s4, t4, Succeed(1), t4.(pcs := [Returned(true), Returned(false)]));
    steps := s5;
  }

  /** With two servers it is not: one fails all the way through its hook, the other then reports that it
      is transferring and succeeds, and the task ends completed, in its row next to the reason for which
      it failed. */
  lemma {:induction false} FailureOverwritten()
    ensures exists steps :: Run(Start(2), steps).Some? && Overwritten(Run(Start(2), steps).value)
  {
    hide Run, Start;
    var t0 := Start(2);
    var s5 := SecondSucceeds();
    var t5 := Run(t0, s5).value;
    var t6, s6 := Take(t0, s5, t5, Check, t5.(closer := Completing));
    var t7, s7 := Take(t0, s6, t6, SetCompleted, t6.(tracker := COMPLETED, closer := TrackerCompleted));
    var t8, s8 := Take(t0, s7, t7, RecordCompleted(true),
                       t7.(row := PhaseUpdate(t7.row, COMPLETED), completions := 1, closer := Closed));
  }

  lemma {:induction false} RunNothing(t: Task)
    ensures Run(t, []) == Some(t)
  {}

  lemma {:induction false} Take(t0: Task, before: seq<Step>, t: Task, s: Step, u: Task)
    returns (v: Task, steps: seq<Step>)
    requires Run(t0, before) == Some(t) && Next(t, s) == Some(u)
    ensures v == u && steps == before + [s] && Run(t0, steps) == Some(u)
  {
    v, steps := u, before + [s];
    assert steps[..|before|] == before;
  }

  // ---- no task is ever stuck -----------------------------------------------------------------

  predicate Finished(t: Task) { t.closer == GaveUp || t.closer == Closed }

  /** How many steps of its own a replica is from its return, if it does not fail any more. */
  function Remaining(pc: Pc): nat {
    match pc
    case Returned(_) => 0
    case Working => 1
    case RowFailed => 1
    case TrackerFailed => 2
  }

  /** Every replica can return, whatever state it is in. */
  lemma {:induction false} CanReturn(t0: Task, before: seq<Step>, t: Task, n: nat) returns (u: Task, steps: seq<Step>)
    requires Run(t0, before) == Some(t) && t.closer == Waiting && n <= |t.pcs|
    requires forall i :: 0 <= i < n ==> t.pcs[i].Returned?
    ensures before <= steps && Run(t0, steps) == Some(u) && u.closer == Waiting && AllReturned(u)
    decreases |t.pcs| - n, if n < |t.pcs| then Remaining(t.pcs[n]) else 0
  {
    hide Run, PhaseUpdate, FailureUpdate;
    if n == |t.pcs| {
      u, steps := t, before;
    } else if t.pcs[n].Returned? {
      u, steps := CanReturn(t0, before, t, n + 1);
    } else {
      var s := match t.pcs[n]
        case Working => Succeed(n)
        case TrackerFailed => FailRow(n, "", false)
        case _ => FailNotify(n);
      var v, more := Take(t0, before, t, s, Next(t, s).value);
      u, steps := CanReturn(t0, more, v, if v.pcs[n].Returned? then n + 1 else n);
    }
  }

  /** The task can be closed once every replica has returned. */
  lemma {:induction false} CanClose(t0: Task, before: seq<Step>, t: Task) returns (u: Task, steps: seq<Step>)
    requires Run(t0, before) == Some(t) && AllReturned(t)
    ensures before <= steps && Run(t0, steps) == Some(u) && Finished(u)
    decreases match t.closer case Waiting => 3 case Completing => 2 case TrackerCompleted => 1 case _ => 0
  {
    hide Run, PhaseUpdate;
    if Finished(t) {
      u, steps := t, before;
    } else {
      var s := match t.closer case Waiting => Check case Completing => SetCompleted case _ => RecordCompleted(true);
      var v, more := Take(t0, before, t, s, Next(t, s).value);
      u, steps := CanClose(t0, more, v);
    }
  }

  /** Whatever has happened, the task can still be brought to its end: no interleaving is stuck. */
  lemma {:induction false} CanFinish(replicas: nat, steps: seq<Step>) returns (longer: seq<Step>)
    requires Run(Start(replicas), steps).Some?
    ensures steps <= longer && Run(Start(replicas), longer).Some? && Finished(Run(Start(replicas), longer).value)
  {
    RunKeeps(replicas, steps);
    hide Run, Start, Next;
    var t0 := Start(replicas);
    var t := Run(t0, steps).value;
    var before := steps;
    if t.closer == Waiting { t, before := CanReturn(t0, steps, t, 0); }
    var u;
    u, longer := CanClose(t0, before, t);
  }
}
